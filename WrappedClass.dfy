/**
 * The type descriptor: a possibly absent class, and the lookups that resolve
 * its constructors, fields and methods into member descriptors. Lookups are
 * first-match scans over the class's enumerations in the order the JVM gives
 * them. The existence checks and the enumerations guard against an absent
 * class; getConstructor, getField and getMethod dereference the class
 * unguarded, so for them a present class is a precondition.
 */
module WrappedClasses {
  import opened Jvm
  import ReflectUtil
  import LangWrappers
  import WrappedFields
  import WrappedMethods
  import WrappedConstructors

  datatype WrappedClass = WrappedClass(handle: Option<ClassInfo>)

  /** forName(name): the loaded class, or an absent descriptor when not found. */
  function ForName(loader: ClassLoader, name: string): (r: WrappedClass)
    ensures r.handle.Some? <==> name in loader
    ensures r.handle.Some? ==> r.handle.value == loader[name]
  {
    if name in loader then WrappedClass(Some(loader[name])) else WrappedClass(None)
  }

  /** of(clazz): wraps the class as given (null gives an absent descriptor). */
  function Of(clazz: Option<ClassInfo>): (r: WrappedClass)
    ensures r.handle == clazz
  {
    WrappedClass(clazz)
  }

  // ---------------------------------------------------------------------
  // Matching
  // ---------------------------------------------------------------------

  /**
   * compareMethods: same name, parameters accepted by compareParameters (as
   * written), and either no return type requested or the requested one
   * assignable from the declared one.
   */
  predicate CompareMethods(af: Assignability, returnType: Option<Type>, name: string, m: Method, params: Option<seq<Type>>)
    ensures CompareMethods(af, returnType, name, m, params) <==>
              && m.name == name
              && (params.None? ||
                  (|m.paramTypes| == |params.value|
                   && forall i :: 0 <= i < |m.paramTypes| ==> !af(params.value[i], m.paramTypes[i])))
              && (returnType.None? || af(returnType.value, m.returnType))
  {
    && m.name == name
    && ReflectUtil.CompareParameters(af, Some(m.paramTypes), params)
    && (returnType.None? || af(returnType.value, m.returnType))
  }

  /** compare(constructor, params): compareParameters on its parameter types. */
  predicate Compare(af: Assignability, c: Constructor, params: Option<seq<Type>>)
    ensures Compare(af, c, params) <==>
              params.None? ||
              (|c.paramTypes| == |params.value|
               && forall i :: 0 <= i < |c.paramTypes| ==> !af(params.value[i], c.paramTypes[i]))
  {
    ReflectUtil.CompareParameters(af, Some(c.paramTypes), params)
  }

  /** The field test of hasField: same name and, if a type is given, assignable to it. */
  predicate FieldMatches(af: Assignability, fieldType: Option<Type>, name: string, f: Field) {
    f.name == name && (fieldType.None? || af(fieldType.value, f.fieldType))
  }

  // ---------------------------------------------------------------------
  // First-match positions (the specifications of the lookup loops)
  // ---------------------------------------------------------------------

  /** The position of the first method compareMethods accepts, |ms| if none. */
  function MethodIndex(af: Assignability, ms: seq<Method>, returnType: Option<Type>, name: string, params: Option<seq<Type>>): (k: nat)
    ensures k <= |ms|
    ensures forall j :: 0 <= j < k ==> !CompareMethods(af, returnType, name, ms[j], params)
    ensures k < |ms| ==> CompareMethods(af, returnType, name, ms[k], params)
  {
    if ms == [] then 0
    else if CompareMethods(af, returnType, name, ms[0], params) then 0
    else 1 + MethodIndex(af, ms[1..], returnType, name, params)
  }

  /** The position of the first constructor compare accepts, |cs| if none. */
  function ConstructorIndex(af: Assignability, cs: seq<Constructor>, params: Option<seq<Type>>): (k: nat)
    ensures k <= |cs|
    ensures forall j :: 0 <= j < k ==> !Compare(af, cs[j], params)
    ensures k < |cs| ==> Compare(af, cs[k], params)
  {
    if cs == [] then 0
    else if Compare(af, cs[0], params) then 0
    else 1 + ConstructorIndex(af, cs[1..], params)
  }

  /** The method a lookup over ms resolves to, if any. */
  function FirstMethod(af: Assignability, ms: seq<Method>, returnType: Option<Type>, name: string, params: Option<seq<Type>>): Option<Method> {
    var k := MethodIndex(af, ms, returnType, name, params);
    if k < |ms| then Some(ms[k]) else None
  }

  /** The constructor a lookup over cs resolves to, if any. */
  function FirstConstructor(af: Assignability, cs: seq<Constructor>, params: Option<seq<Type>>): Option<Constructor> {
    var k := ConstructorIndex(af, cs, params);
    if k < |cs| then Some(cs[k]) else None
  }

  // ---------------------------------------------------------------------
  // Existence checks (early-exit loops, read only)
  // ---------------------------------------------------------------------

  /** The loop of hasMethod / hasDeclaredMethod over one enumeration. */
  function AnyMethodMatches(af: Assignability, ms: seq<Method>, returnType: Option<Type>, name: string, params: Option<seq<Type>>): (b: bool)
    ensures b <==> exists i :: 0 <= i < |ms| && CompareMethods(af, returnType, name, ms[i], params)
  {
    if ms == [] then false
    else if CompareMethods(af, returnType, name, ms[0], params) then true
    else
      var rest := AnyMethodMatches(af, ms[1..], returnType, name, params);
      assert forall i :: 0 < i < |ms| ==> ms[i] == ms[1..][i - 1];
      rest
  }

  /** The loop of hasConstructor. */
  function AnyConstructorMatches(af: Assignability, cs: seq<Constructor>, params: Option<seq<Type>>): (b: bool)
    ensures b <==> exists i :: 0 <= i < |cs| && Compare(af, cs[i], params)
  {
    if cs == [] then false
    else if Compare(af, cs[0], params) then true
    else
      var rest := AnyConstructorMatches(af, cs[1..], params);
      assert forall i :: 0 < i < |cs| ==> cs[i] == cs[1..][i - 1];
      rest
  }

  /** The loop of hasField / hasDeclaredField. */
  function AnyFieldMatches(af: Assignability, fs: seq<Field>, fieldType: Option<Type>, name: string): (b: bool)
    ensures b <==> exists i :: 0 <= i < |fs| && FieldMatches(af, fieldType, name, fs[i])
  {
    if fs == [] then false
    else if FieldMatches(af, fieldType, name, fs[0]) then true
    else
      var rest := AnyFieldMatches(af, fs[1..], fieldType, name);
      assert forall i :: 0 < i < |fs| ==> fs[i] == fs[1..][i - 1];
      rest
  }

  /** hasMethod: false on an absent class, else some public method matches. */
  predicate HasMethod(af: Assignability, wc: WrappedClass, returnType: Option<Type>, name: string, params: Option<seq<Type>>)
    ensures HasMethod(af, wc, returnType, name, params) <==>
              wc.handle.Some? && FirstMethod(af, wc.handle.value.methods, returnType, name, params).Some?
  {
    if wc.handle.None? then false
    else
      AnyMethodIffIndex(af, wc.handle.value.methods, returnType, name, params);
      AnyMethodMatches(af, wc.handle.value.methods, returnType, name, params)
  }

  /** hasDeclaredMethod: likewise over the declared methods. */
  predicate HasDeclaredMethod(af: Assignability, wc: WrappedClass, returnType: Option<Type>, name: string, params: Option<seq<Type>>)
    ensures HasDeclaredMethod(af, wc, returnType, name, params) <==>
              wc.handle.Some? && FirstMethod(af, wc.handle.value.declaredMethods, returnType, name, params).Some?
  {
    if wc.handle.None? then false
    else
      AnyMethodIffIndex(af, wc.handle.value.declaredMethods, returnType, name, params);
      AnyMethodMatches(af, wc.handle.value.declaredMethods, returnType, name, params)
  }

  /** hasConstructor: false on an absent class, else some public constructor matches. */
  predicate HasConstructor(af: Assignability, wc: WrappedClass, params: Option<seq<Type>>)
    ensures HasConstructor(af, wc, params) <==>
              wc.handle.Some? && FirstConstructor(af, wc.handle.value.constructors, params).Some?
  {
    if wc.handle.None? then false
    else
      AnyConstructorIffIndex(af, wc.handle.value.constructors, params);
      AnyConstructorMatches(af, wc.handle.value.constructors, params)
  }

  /** hasField: false on an absent class, else some public field matches. */
  predicate HasField(af: Assignability, wc: WrappedClass, fieldType: Option<Type>, name: string)
    ensures HasField(af, wc, fieldType, name) <==>
              wc.handle.Some? && exists f :: f in wc.handle.value.fields && FieldMatches(af, fieldType, name, f)
  {
    wc.handle.Some? && AnyFieldMatches(af, wc.handle.value.fields, fieldType, name)
  }

  /** hasDeclaredField: likewise over the declared fields. */
  predicate HasDeclaredField(af: Assignability, wc: WrappedClass, fieldType: Option<Type>, name: string)
    ensures HasDeclaredField(af, wc, fieldType, name) <==>
              wc.handle.Some? && exists f :: f in wc.handle.value.declaredFields && FieldMatches(af, fieldType, name, f)
  {
    wc.handle.Some? && AnyFieldMatches(af, wc.handle.value.declaredFields, fieldType, name)
  }

  /** The existence check over an enumeration agrees with the first-match position. */
  lemma {:induction false} AnyMethodIffIndex(af: Assignability, ms: seq<Method>, returnType: Option<Type>, name: string, params: Option<seq<Type>>)
    ensures AnyMethodMatches(af, ms, returnType, name, params) <==> MethodIndex(af, ms, returnType, name, params) < |ms|
  {
    var k := MethodIndex(af, ms, returnType, name, params);
    if k < |ms| {
      assert CompareMethods(af, returnType, name, ms[k], params);
    }
  }

  /** Likewise for constructors. */
  lemma {:induction false} AnyConstructorIffIndex(af: Assignability, cs: seq<Constructor>, params: Option<seq<Type>>)
    ensures AnyConstructorMatches(af, cs, params) <==> ConstructorIndex(af, cs, params) < |cs|
  {
    var k := ConstructorIndex(af, cs, params);
    if k < |cs| {
      assert Compare(af, cs[k], params);
    }
  }

  /** On an absent class every existence check is false. */
  lemma AbsentClassHasNothing(af: Assignability, returnType: Option<Type>, name: string, params: Option<seq<Type>>, fieldType: Option<Type>)
    ensures !HasMethod(af, WrappedClass(None), returnType, name, params)
    ensures !HasDeclaredMethod(af, WrappedClass(None), returnType, name, params)
    ensures !HasConstructor(af, WrappedClass(None), params)
    ensures !HasField(af, WrappedClass(None), fieldType, name)
    ensures !HasDeclaredField(af, WrappedClass(None), fieldType, name)
  {
  }

  // ---------------------------------------------------------------------
  // Lookups (loops with a mutable local and break)
  // ---------------------------------------------------------------------

  /** The loop shared by getMethod and getDeclaredMethod, over one enumeration. */
  method FindMethod(af: Assignability, ms: seq<Method>, returnType: Option<Type>, name: string, params: Option<seq<Type>>)
    returns (r: WrappedMethods.WrappedMethod)
    ensures r == WrappedMethods.Of(FirstMethod(af, ms, returnType, name, params), returnType)
    ensures r.handle.Some? <==> AnyMethodMatches(af, ms, returnType, name, params)
  {
    var found: Option<Method> := None;
    var i := 0;
    while i < |ms|
      invariant 0 <= i <= |ms|
      invariant found.None?
      invariant forall j :: 0 <= j < i ==> !CompareMethods(af, returnType, name, ms[j], params)
    {
      if CompareMethods(af, returnType, name, ms[i], params) {
        found := Some(ms[i]);
        break;
      }
      i := i + 1;
    }
    AnyMethodIffIndex(af, ms, returnType, name, params);
    r := WrappedMethods.Of(found, returnType);
  }

  /**
   * getMethod(returnType, name, params): the first public method, in
   * enumeration order, that compareMethods accepts, else absent; present
   * exactly when hasMethod holds.
   */
  method GetMethod(af: Assignability, wc: WrappedClass, returnType: Option<Type>, name: string, params: Option<seq<Type>>)
    returns (r: WrappedMethods.WrappedMethod)
    requires wc.handle.Some?
    ensures r == WrappedMethods.Of(FirstMethod(af, wc.handle.value.methods, returnType, name, params), returnType)
    ensures r.handle.Some? <==> HasMethod(af, wc, returnType, name, params)
  {
    r := FindMethod(af, wc.handle.value.methods, returnType, name, params);
  }

  /** getMethod(name, params): getMethod with a null return type. */
  method GetMethodUntyped(af: Assignability, wc: WrappedClass, name: string, params: Option<seq<Type>>)
    returns (r: WrappedMethods.WrappedMethod)
    requires wc.handle.Some?
    ensures r == WrappedMethods.Of(FirstMethod(af, wc.handle.value.methods, None, name, params), None)
    ensures r.returnType.None?
    ensures r.handle.Some? <==> HasMethod(af, wc, None, name, params)
  {
    r := GetMethod(af, wc, None, name, params);
  }

  /** getDeclaredMethod(returnType, name, params): as getMethod, over the declared methods. */
  method GetDeclaredMethod(af: Assignability, wc: WrappedClass, returnType: Option<Type>, name: string, params: Option<seq<Type>>)
    returns (r: WrappedMethods.WrappedMethod)
    requires wc.handle.Some?
    ensures r == WrappedMethods.Of(FirstMethod(af, wc.handle.value.declaredMethods, returnType, name, params), returnType)
    ensures r.handle.Some? <==> HasDeclaredMethod(af, wc, returnType, name, params)
  {
    r := FindMethod(af, wc.handle.value.declaredMethods, returnType, name, params);
  }

  /** getDeclaredMethod(name, params): getDeclaredMethod with a null return type. */
  method GetDeclaredMethodUntyped(af: Assignability, wc: WrappedClass, name: string, params: Option<seq<Type>>)
    returns (r: WrappedMethods.WrappedMethod)
    requires wc.handle.Some?
    ensures r == WrappedMethods.Of(FirstMethod(af, wc.handle.value.declaredMethods, None, name, params), None)
    ensures r.returnType.None?
    ensures r.handle.Some? <==> HasDeclaredMethod(af, wc, None, name, params)
  {
    r := GetDeclaredMethod(af, wc, None, name, params);
  }

  /**
   * getConstructor(params): the first public constructor, in enumeration
   * order, whose parameters compareParameters accepts, else absent; present
   * exactly when hasConstructor holds.
   */
  method GetConstructor(af: Assignability, wc: WrappedClass, params: Option<seq<Type>>)
    returns (r: WrappedConstructors.WrappedConstructor)
    requires wc.handle.Some?
    ensures r == WrappedConstructors.Of(FirstConstructor(af, wc.handle.value.constructors, params))
    ensures r.handle.Some? <==> HasConstructor(af, wc, params)
  {
    var cs := wc.handle.value.constructors;
    var found: Option<Constructor> := None;
    var i := 0;
    while i < |cs|
      invariant 0 <= i <= |cs|
      invariant found.None?
      invariant forall j :: 0 <= j < i ==> !Compare(af, cs[j], params)
    {
      if Compare(af, cs[i], params) {
        found := Some(cs[i]);
        break;
      }
      i := i + 1;
    }
    AnyConstructorIffIndex(af, cs, params);
    r := WrappedConstructors.Of(found);
  }

  /** getField(name): Class.getField, wrapped; no value type is stored. */
  function GetField(wc: WrappedClass, name: string): (r: WrappedFields.WrappedField)
    requires wc.handle.Some?
    ensures r.fieldType.None?
    ensures r.handle.Some? <==> exists i :: 0 <= i < |wc.handle.value.fields| && wc.handle.value.fields[i].name == name
    ensures r.handle.Some? ==> r.handle.value in wc.handle.value.fields && r.handle.value.name == name
  {
    WrappedFields.Of(LookupField(wc.handle.value.fields, name))
  }

  /** getField(fieldType, name): the same search, ignoring fieldType; the type is only stored. */
  function GetFieldTyped(wc: WrappedClass, fieldType: Type, name: string): (r: WrappedFields.WrappedField)
    requires wc.handle.Some?
    ensures r.handle == GetField(wc, name).handle
    ensures r.fieldType == Some(fieldType)
  {
    WrappedFields.OfTyped(Some(fieldType), LookupField(wc.handle.value.fields, name))
  }

  /** getDeclaredField(name): Class.getDeclaredField, wrapped; no value type. */
  function GetDeclaredField(wc: WrappedClass, name: string): (r: WrappedFields.WrappedField)
    requires wc.handle.Some?
    ensures r.fieldType.None?
    ensures r.handle.Some? <==> exists i :: 0 <= i < |wc.handle.value.declaredFields| && wc.handle.value.declaredFields[i].name == name
    ensures r.handle.Some? ==> r.handle.value in wc.handle.value.declaredFields && r.handle.value.name == name
  {
    WrappedFields.Of(LookupField(wc.handle.value.declaredFields, name))
  }

  /** getDeclaredField(fieldType, name): the same search, ignoring fieldType. */
  function GetDeclaredFieldTyped(wc: WrappedClass, fieldType: Type, name: string): (r: WrappedFields.WrappedField)
    requires wc.handle.Some?
    ensures r.handle == GetDeclaredField(wc, name).handle
    ensures r.fieldType == Some(fieldType)
  {
    WrappedFields.OfTyped(Some(fieldType), LookupField(wc.handle.value.declaredFields, name))
  }

  /** Without a type, hasField holds exactly when getField finds a field. */
  lemma HasFieldIffGetField(af: Assignability, wc: WrappedClass, name: string)
    requires wc.handle.Some?
    ensures HasField(af, wc, None, name) <==> GetField(wc, name).handle.Some?
    ensures HasDeclaredField(af, wc, None, name) <==> GetDeclaredField(wc, name).handle.Some?
  {
    var fs, ds := wc.handle.value.fields, wc.handle.value.declaredFields;
    if GetField(wc, name).handle.Some? {
      var i :| 0 <= i < |fs| && fs[i].name == name;
      assert FieldMatches(af, None, name, fs[i]);
    }
    if GetDeclaredField(wc, name).handle.Some? {
      var i :| 0 <= i < |ds| && ds[i].name == name;
      assert FieldMatches(af, None, name, ds[i]);
    }
  }

  /** With a type, hasField implies getField finds a field, but not conversely. */
  lemma HasFieldTypedThenFound(af: Assignability, wc: WrappedClass, fieldType: Type, name: string)
    requires wc.handle.Some?
    requires HasField(af, wc, Some(fieldType), name)
    ensures GetFieldTyped(wc, fieldType, name).handle.Some?
  {
    var fs := wc.handle.value.fields;
    var i :| 0 <= i < |fs| && FieldMatches(af, Some(fieldType), name, fs[i]);
    assert fs[i].name == name;
  }

  /**
   * getField(type, name) finds a field whose type does not fit the requested
   * one, although hasField(type, name) says there is none.
   */
  lemma GetFieldTypedIgnoresType()
    ensures var f := Field(ClassType("A"), "count", Primitive(Int));
            var wc := WrappedClass(Some(ClassInfo(ClassType("A"), [], [], [], [f], [f])));
            var af: Assignability := (a, b) => a == b;
            && !HasField(af, wc, Some(ClassType("java.lang.String")), "count")
            && GetFieldTyped(wc, ClassType("java.lang.String"), "count").handle == Some(f)
  {
    var f := Field(ClassType("A"), "count", Primitive(Int));
    var af: Assignability := (a, b) => a == b;
    assert !FieldMatches(af, Some(ClassType("java.lang.String")), "count", f);
  }

  // ---------------------------------------------------------------------
  // Enumerations
  // ---------------------------------------------------------------------

  /** wrap(Method...): each method wrapped once, without a return type, in order. */
  method WrapMethods(ms: seq<Method>) returns (ws: seq<WrappedMethods.WrappedMethod>)
    ensures |ws| == |ms|
    ensures forall i :: 0 <= i < |ms| ==> ws[i] == WrappedMethods.OfMethod(Some(ms[i]))
  {
    ws := [];
    for i := 0 to |ms|
      invariant |ws| == i
      invariant forall j :: 0 <= j < i ==> ws[j] == WrappedMethods.OfMethod(Some(ms[j]))
    {
      ws := ws + [WrappedMethods.OfMethod(Some(ms[i]))];
    }
  }

  /** wrap(Field...): each field wrapped once, without a value type, in order. */
  method WrapFields(fs: seq<Field>) returns (ws: seq<WrappedFields.WrappedField>)
    ensures |ws| == |fs|
    ensures forall i :: 0 <= i < |fs| ==> ws[i] == WrappedFields.Of(Some(fs[i]))
  {
    ws := [];
    for i := 0 to |fs|
      invariant |ws| == i
      invariant forall j :: 0 <= j < i ==> ws[j] == WrappedFields.Of(Some(fs[j]))
    {
      ws := ws + [WrappedFields.Of(Some(fs[i]))];
    }
  }

  /** getMethods(): empty for an absent class, else every public method wrapped. */
  method GetMethods(wc: WrappedClass) returns (ws: seq<WrappedMethods.WrappedMethod>)
    ensures wc.handle.None? ==> ws == []
    ensures wc.handle.Some? ==>
              |ws| == |wc.handle.value.methods|
              && forall i :: 0 <= i < |ws| ==> ws[i] == WrappedMethods.OfMethod(Some(wc.handle.value.methods[i]))
  {
    if wc.handle.None? {
      ws := [];
    } else {
      ws := WrapMethods(wc.handle.value.methods);
    }
  }

  /** getFields(): empty for an absent class, else every public field wrapped. */
  method GetFields(wc: WrappedClass) returns (ws: seq<WrappedFields.WrappedField>)
    ensures wc.handle.None? ==> ws == []
    ensures wc.handle.Some? ==>
              |ws| == |wc.handle.value.fields|
              && forall i :: 0 <= i < |ws| ==> ws[i] == WrappedFields.Of(Some(wc.handle.value.fields[i]))
  {
    if wc.handle.None? {
      ws := [];
    } else {
      ws := WrapFields(wc.handle.value.fields);
    }
  }

  /** getDeclaredFields(): empty for an absent class, else every declared field wrapped. */
  method GetDeclaredFields(wc: WrappedClass) returns (ws: seq<WrappedFields.WrappedField>)
    ensures wc.handle.None? ==> ws == []
    ensures wc.handle.Some? ==>
              |ws| == |wc.handle.value.declaredFields|
              && forall i :: 0 <= i < |ws| ==> ws[i] == WrappedFields.Of(Some(wc.handle.value.declaredFields[i]))
  {
    if wc.handle.None? {
      ws := [];
    } else {
      ws := WrapFields(wc.handle.value.declaredFields);
    }
  }

  // ---------------------------------------------------------------------
  // Equality
  // ---------------------------------------------------------------------

  /** equals: equal wrapped classes (Objects.equals on the reference). */
  predicate Equals(a: WrappedClass, b: WrappedClass)
    ensures Equals(a, b) <==> a == b
  {
    a.handle == b.handle
  }

  /** The LangWrapper this descriptor is. */
  function AsLang(w: WrappedClass): LangWrappers.LangWrapper<ClassInfo> {
    LangWrappers.LangWrapper(LangWrappers.ClassWrapper, w.handle)
  }

  /** equals agrees with the inherited LangWrapper equality and with identity. */
  lemma EqualsAsLang(a: WrappedClass, b: WrappedClass)
    ensures Equals(a, b) <==> LangWrappers.Equals(AsLang(a), AsLang(b))
    ensures Equals(a, b) <==> a == b
  {
  }

  /** A name that does not resolve gives an absent class on which every check fails. */
  lemma ForNameMissing(af: Assignability, loader: ClassLoader, name: string, member: string, returnType: Option<Type>, params: Option<seq<Type>>, fieldType: Option<Type>)
    requires name !in loader
    ensures ForName(loader, name).handle.None?
    ensures !HasMethod(af, ForName(loader, name), returnType, member, params)
    ensures !HasDeclaredMethod(af, ForName(loader, name), returnType, member, params)
    ensures !HasConstructor(af, ForName(loader, name), params)
    ensures !HasField(af, ForName(loader, name), fieldType, member)
    ensures !HasDeclaredField(af, ForName(loader, name), fieldType, member)
  {
    AbsentClassHasNothing(af, returnType, member, params, fieldType);
  }

  // ---------------------------------------------------------------------
  // Consequences of the parameter rule as written
  // ---------------------------------------------------------------------

  /**
   * A method whose declared parameter list is non-empty is never found by a
   * lookup that requests exactly those parameter types.
   */
  lemma {:induction false} ExactSignatureNeverFound(af: Assignability, ms: seq<Method>, returnType: Option<Type>, name: string, ps: seq<Type>)
    requires Reflexive(af)
    requires |ps| > 0
    requires forall i :: 0 <= i < |ms| && ms[i].name == name ==> ms[i].paramTypes == ps
    ensures FirstMethod(af, ms, returnType, name, Some(ps)).None?
    ensures !AnyMethodMatches(af, ms, returnType, name, Some(ps))
  {
    forall i | 0 <= i < |ms|
      ensures !CompareMethods(af, returnType, name, ms[i], Some(ps))
    {
      if ms[i].name == name {
        ReflectUtil.IdenticalListsNeverMatch(af, ps);
      }
    }
    AnyMethodIffIndex(af, ms, returnType, name, Some(ps));
  }

  /**
   * A class with f(int) -> String: getMethod(String, "f", int) is absent,
   * because int is assignable from int; and getMethod("f") with no
   * parameters is absent as well, since the arities differ.
   */
  lemma SingleOverloadLookups(af: Assignability)
    requires Reflexive(af)
    ensures var f := Method(ClassType("A"), "f", [Primitive(Int)], ClassType("java.lang.String"), []);
            var ms := [f];
            && FirstMethod(af, ms, Some(ClassType("java.lang.String")), "f", Some([Primitive(Int)])).None?
            && FirstMethod(af, ms, None, "f", Some([])).None?
  {
    var f := Method(ClassType("A"), "f", [Primitive(Int)], ClassType("java.lang.String"), []);
    assert af(Primitive(Int), Primitive(Int));
    assert !CompareMethods(af, Some(ClassType("java.lang.String")), "f", f, Some([Primitive(Int)]));
  }

  /** A parameterless method is found by name, with any assignable return type. */
  lemma NoArgumentMethodFound(af: Assignability, m: Method, returnType: Option<Type>)
    requires m.paramTypes == []
    requires returnType.None? || af(returnType.value, m.returnType)
    ensures FirstMethod(af, [m], returnType, m.name, Some([])) == Some(m)
  {
  }
}
