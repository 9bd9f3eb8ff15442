# A verified model of the reflect library's member resolution

This project models the core of Chevyself/reflect, a safe-access layer over
Java reflection. A caller wraps a class in a **type descriptor**
(`WrappedClass`), resolves constructors, fields and methods through it into
**member descriptors** (`WrappedConstructor`, `WrappedField`,
`WrappedMethod`), and invokes, reads or writes through those. "Not found" is
never an exception: it is an absent descriptor. Every operation on an absent
member descriptor, and every existence check or enumeration on an absent type
descriptor, yields null, false or nothing and touches nothing. Collection-valued
fields can be changed in place through a **collection modifier** policy
(`Add`, `AddAll`). Three small holders (`SimpleWrapper`, `AbstractWrapper`,
`LangWrapper`) give the wrap-one-value contract the descriptors share.

Layout, one module per source file:

- `Jvm.dfy` (`Jvm`): what the library asks of the JVM. Types are primitive
  classes, `void`, or named reference types. Assignability
  (`Class.isAssignableFrom`) is a function parameter `af`; lemmas that need
  it reflexive say so. A class is the five sequences its reflective
  enumerations return. Target objects are heap objects (`JObject`) holding a
  field-to-value map and, for collections, their elements. `Method.invoke`
  and `Constructor.newInstance` are function parameters returning a value or
  an error.
- `ReflectUtil.dfy`: the boxing table, annotation lookup, and
  `compareParameters`.
- `WrappedClass.dfy`, `WrappedField.dfy`, `WrappedMethod.dfy`,
  `WrappedConstructor.dfy`: the descriptors.
- `CollectionModifier.dfy`: the modifier policies, and
  `WrappedField.set(Object, Modifier)`. That method lives here because the
  policy reads the field through the field descriptor, and Dafny modules
  cannot import each other in a cycle.
- `LangWrapper.dfy`, `SimpleWrapper.dfy`, `AbstractWrapper.dfy`: the holders.

Java `null` is `None` for handles, types and parameter arrays, and
`Null` for values. Exceptions are the `Err` case of `Result`.

**The parameter rule is modelled as written.** `compareParameters`
rejects a position when the *requested* type is assignable from the
*declared* one. The return-type check in `compareMethods` goes the other
way. Because assignability is reflexive, requesting a method's exact
non-empty parameter types never finds it (`IdenticalListsNeverMatch`,
`ExactSignatureNeverFound`, `SingleOverloadLookups`). Given the JDK's
signatures of `Collection.add(Object)`, `Collection.addAll(Collection)` and
`List.add(int, Object)`, the three method descriptors that
`CollectionModifier` resolves come back absent (`AddDescriptorsAbsent`). The modifier itself
is modelled as the JDK calls those descriptors stand for, as if they were
present.

## Model

| member | source | states |
|---|---|---|
| ReflectUtil.BoxingTableExact | src/main/java/me/googas/reflect/util/ReflectUtil.java:15-24 | the boxing table holds exactly the eight primitive classes, void excluded, each mapped to its box class |
| ReflectUtil.InitBoxing | src/main/java/me/googas/reflect/util/ReflectUtil.java:13-24 | the static block's eight puts leave a map whose keys are exactly the primitive classes and whose values are their boxes |
| ReflectUtil.GetBoxing | src/main/java/me/googas/reflect/util/ReflectUtil.java:105-107 | a box is returned exactly for the eight primitive classes; it is the JDK box and is not primitive; anything else, void included, gives null |
| ReflectUtil.VoidHasNoBox | src/main/java/me/googas/reflect/util/ReflectUtil.java:105-107 | void is primitive, but getBoxing(void) is null |
| ReflectUtil.HasAnnotation | src/main/java/me/googas/reflect/util/ReflectUtil.java:33-41 | true iff some annotation's type is exactly the requested class |
| ReflectUtil.HasMethodAnnotation | src/main/java/me/googas/reflect/util/ReflectUtil.java:72-75 | the method overload: true iff one of the method's annotations has exactly that type |
| ReflectUtil.AssignableIndex | src/main/java/me/googas/reflect/util/ReflectUtil.java:56-60 | the scan position: no earlier annotation is assignable to the class, and the one found (if any) is |
| ReflectUtil.GetAnnotation | src/main/java/me/googas/reflect/util/ReflectUtil.java:54-63 | returns the first annotation whose type is assignable to the class; IllegalArgumentException iff none is |
| ReflectUtil.HasAnnotationThenGetSucceeds | src/main/java/me/googas/reflect/util/ReflectUtil.java:33-63 | with reflexive assignability, hasAnnotation implies getAnnotation does not throw |
| ReflectUtil.NoPositionRejected | src/main/java/me/googas/reflect/util/ReflectUtil.java:88-90 | the loop accepts iff at no position is the requested type assignable from the declared type |
| ReflectUtil.CompareParameters | src/main/java/me/googas/reflect/util/ReflectUtil.java:85-92 | true when either array is null; false for different lengths; otherwise true iff no position has requested assignable from declared |
| ReflectUtil.EmptyListsMatch | src/main/java/me/googas/reflect/util/ReflectUtil.java:85-91 | two empty lists always match |
| ReflectUtil.IdenticalListsNeverMatch | src/main/java/me/googas/reflect/util/ReflectUtil.java:88-89 | with reflexive assignability, a non-empty list never matches itself |
| ReflectUtil.SupertypeRequestRejected | src/main/java/me/googas/reflect/util/ReflectUtil.java:88-89 | requesting a supertype of a declared parameter at any position rejects the whole list |
| Jvm.LookupField | src/main/java/me/googas/reflect/wrappers/WrappedClass.java:88-96 | Class.getField/getDeclaredField as used: finds a field iff one has the name, and the one found has it |
| Jvm.Cast | src/main/java/me/googas/reflect/wrappers/WrappedField.java:78 | Class.cast: null and instances pass unchanged; anything else is a ClassCastException |
| Jvm.FieldGet | src/main/java/me/googas/reflect/wrappers/WrappedField.java:61 | Field.get: the instance's current value of the field, IllegalArgumentException iff the instance has no such field |
| Jvm.FieldSet | src/main/java/me/googas/reflect/wrappers/WrappedField.java:96 | Field.set writes exactly that field of the instance, or throws IllegalArgumentException if the instance lacks it |
| WrappedClasses.ForName | src/main/java/me/googas/reflect/wrappers/WrappedClass.java:42-48 | present iff the name resolves, holding that class; a missing name gives an absent descriptor, never an error |
| WrappedClasses.Of | src/main/java/me/googas/reflect/wrappers/WrappedClass.java:58-60 | wraps the class as given |
| WrappedClasses.CompareMethods | src/main/java/me/googas/reflect/wrappers/WrappedClass.java:255-264 | true iff the names are equal, no requested parameter type is assignable from the declared one (equal lengths), and the requested return type is null or assignable from the declared one |
| WrappedClasses.Compare | src/main/java/me/googas/reflect/wrappers/WrappedClass.java:341-343 | a constructor matches iff compareParameters accepts its parameter types |
| WrappedClasses.MethodIndex | src/main/java/me/googas/reflect/wrappers/WrappedClass.java:177-184 | the first-match position: no earlier method matches, and the one there (if any) does |
| WrappedClasses.ConstructorIndex | src/main/java/me/googas/reflect/wrappers/WrappedClass.java:70-77 | the same for constructors |
| WrappedClasses.AnyMethodMatches | src/main/java/me/googas/reflect/wrappers/WrappedClass.java:231-233 | the hasMethod loop is true iff some method in the enumeration matches |
| WrappedClasses.AnyConstructorMatches | src/main/java/me/googas/reflect/wrappers/WrappedClass.java:324-328 | the hasConstructor loop is true iff some constructor matches |
| WrappedClasses.AnyFieldMatches | src/main/java/me/googas/reflect/wrappers/WrappedClass.java:275-278 | the hasField loop is true iff some field has the name and a type the requested one (if any) is assignable from |
| WrappedClasses.HasMethod | src/main/java/me/googas/reflect/wrappers/WrappedClass.java:229-236 | false on an absent class; else true iff the getMethod scan finds a public method |
| WrappedClasses.HasDeclaredMethod | src/main/java/me/googas/reflect/wrappers/WrappedClass.java:246-253 | false on an absent class; else true iff the getDeclaredMethod scan finds a declared method |
| WrappedClasses.HasConstructor | src/main/java/me/googas/reflect/wrappers/WrappedClass.java:322-331 | false on an absent class; else true iff the getConstructor scan finds a public constructor |
| WrappedClasses.HasField | src/main/java/me/googas/reflect/wrappers/WrappedClass.java:273-281 | false on an absent class; else true iff some public field has the name and a type the requested one (if any) is assignable from |
| WrappedClasses.HasDeclaredField | src/main/java/me/googas/reflect/wrappers/WrappedClass.java:290-298 | the same over the declared fields |
| WrappedClasses.AnyMethodIffIndex | src/main/java/me/googas/reflect/wrappers/WrappedClass.java:175-236 | the existence loop succeeds iff the lookup loop finds a method |
| WrappedClasses.AnyConstructorIffIndex | src/main/java/me/googas/reflect/wrappers/WrappedClass.java:69-79 | the same for constructors |
| WrappedClasses.AbsentClassHasNothing | src/main/java/me/googas/reflect/wrappers/WrappedClass.java:229-298 | on an absent class every has* check is false |
| WrappedClasses.FindMethod | src/main/java/me/googas/reflect/wrappers/WrappedClass.java:177-184 | the loop with break yields the first matching method, wrapped with the requested return type, and is present iff some method matches |
| WrappedClasses.GetMethod | src/main/java/me/googas/reflect/wrappers/WrappedClass.java:175-185 | on a present class: the first public method compareMethods accepts, else absent; present iff hasMethod holds |
| WrappedClasses.GetMethodUntyped | src/main/java/me/googas/reflect/wrappers/WrappedClass.java:161-163 | equals getMethod with a null return type; stores no return type |
| WrappedClasses.GetDeclaredMethod | src/main/java/me/googas/reflect/wrappers/WrappedClass.java:209-219 | the same over the declared methods; present iff hasDeclaredMethod holds |
| WrappedClasses.GetDeclaredMethodUntyped | src/main/java/me/googas/reflect/wrappers/WrappedClass.java:195-197 | equals getDeclaredMethod with a null return type |
| WrappedClasses.GetConstructor | src/main/java/me/googas/reflect/wrappers/WrappedClass.java:69-79 | on a present class: the first public constructor compareParameters accepts, else absent; present iff hasConstructor holds |
| WrappedClasses.GetField | src/main/java/me/googas/reflect/wrappers/WrappedClass.java:88-96 | present iff a public field has the name, holding such a field; no value type stored |
| WrappedClasses.GetFieldTyped | src/main/java/me/googas/reflect/wrappers/WrappedClass.java:107-115 | finds the same field as getField(name), ignoring the type, which is only stored |
| WrappedClasses.GetDeclaredField | src/main/java/me/googas/reflect/wrappers/WrappedClass.java:124-132 | present iff a declared field has the name; no value type stored |
| WrappedClasses.GetDeclaredFieldTyped | src/main/java/me/googas/reflect/wrappers/WrappedClass.java:143-151 | finds the same field as getDeclaredField(name), ignoring the type |
| WrappedClasses.HasFieldIffGetField | src/main/java/me/googas/reflect/wrappers/WrappedClass.java:273-298 | without a type, hasField/hasDeclaredField hold iff getField/getDeclaredField find a field |
| WrappedClasses.HasFieldTypedThenFound | src/main/java/me/googas/reflect/wrappers/WrappedClass.java:107-115 | hasField(type, name) implies getField(type, name) is present |
| WrappedClasses.GetFieldTypedIgnoresType | src/main/java/me/googas/reflect/wrappers/WrappedClass.java:107-115 | a concrete class where getField(String, "count") finds an int field although hasField(String, "count") is false |
| WrappedClasses.WrapMethods | src/main/java/me/googas/reflect/wrappers/WrappedClass.java:308-314 | each method wrapped once, without a return type, same order and length |
| WrappedClasses.WrapFields | src/main/java/me/googas/reflect/wrappers/WrappedClass.java:300-306 | each field wrapped once, without a value type, same order and length |
| WrappedClasses.GetMethods | src/main/java/me/googas/reflect/wrappers/WrappedClass.java:351-353 | empty for an absent class, else every public method wrapped in order |
| WrappedClasses.GetFields | src/main/java/me/googas/reflect/wrappers/WrappedClass.java:361-365 | empty for an absent class, else every public field wrapped in order |
| WrappedClasses.GetDeclaredFields | src/main/java/me/googas/reflect/wrappers/WrappedClass.java:373-377 | empty for an absent class, else every declared field wrapped in order |
| WrappedClasses.Equals | src/main/java/me/googas/reflect/wrappers/WrappedClass.java:390-395 | two class descriptors are equal iff they are the same descriptor |
| WrappedClasses.EqualsAsLang | src/main/java/me/googas/reflect/wrappers/WrappedClass.java:390-395 | equals agrees with LangWrapper equality and is equality of the wrapped class |
| WrappedClasses.ForNameMissing | src/main/java/me/googas/reflect/wrappers/WrappedClass.java:42-48 | a name that does not resolve gives an absent class on which all five has* checks are false, for any member name |
| WrappedClasses.ExactSignatureNeverFound | src/main/java/me/googas/reflect/wrappers/WrappedClass.java:257-261 | requesting a method's own non-empty parameter types never finds it |
| WrappedClasses.SingleOverloadLookups | src/main/java/me/googas/reflect/wrappers/WrappedClass.java:175-185 | for f(int) returning String: getMethod(String, "f", int) and getMethod("f") are both absent |
| WrappedClasses.NoArgumentMethodFound | src/main/java/me/googas/reflect/wrappers/WrappedClass.java:255-264 | a parameterless method is found by name with any requested return type assignable from its own |
| WrappedFields.Of | src/main/java/me/googas/reflect/wrappers/WrappedField.java:31-34 | never fails; a null field is an absent wrapper; no value type stored |
| WrappedFields.OfTyped | src/main/java/me/googas/reflect/wrappers/WrappedField.java:45-48 | never fails; keeps the field and the value type as given |
| WrappedFields.Provide | src/main/java/me/googas/reflect/wrappers/WrappedField.java:58-64 | null when absent; otherwise the instance's current value of the field, or IllegalArgumentException if it has no such field |
| WrappedFields.Get | src/main/java/me/googas/reflect/wrappers/WrappedField.java:75-81 | null when absent or untyped; otherwise a failing read passes through and a read value goes through Class.cast: null and instances returned unchanged, anything else a ClassCastException |
| WrappedFields.Set | src/main/java/me/googas/reflect/wrappers/WrappedField.java:93-100 | true iff present and written; afterwards provide returns the written value and every other field keeps its value; absent writes nothing |
| WrappedFields.Equals | src/main/java/me/googas/reflect/wrappers/WrappedField.java:137-143 | equal iff their LangWrapper views are equal, whatever value types they store |
| WrappedFields.EqualsAsLang | src/main/java/me/googas/reflect/wrappers/WrappedField.java:137-143 | equals agrees with the inherited LangWrapper equality |
| WrappedFields.EqualsIgnoresFieldType | src/main/java/me/googas/reflect/wrappers/WrappedField.java:137-143 | two wrappers of one field are equal whatever value types they store, though the stored types differ |
| WrappedMethods.OfMethod | src/main/java/me/googas/reflect/wrappers/WrappedMethod.java:39-42 | keeps the method; stores no return type |
| WrappedMethods.StoredReturnType | src/main/java/me/googas/reflect/wrappers/WrappedMethod.java:56-59 | null stays null, a primitive becomes its box (via getBoxing), anything else is kept |
| WrappedMethods.Of | src/main/java/me/googas/reflect/wrappers/WrappedMethod.java:53-60 | the stored return type is never primitive; it is null iff none or void was requested; a primitive request stores its box |
| WrappedMethods.Invoke | src/main/java/me/googas/reflect/wrappers/WrappedMethod.java:97-103 | null without a call when absent; otherwise exactly one Method.invoke with the same target and arguments |
| WrappedMethods.Prepare | src/main/java/me/googas/reflect/wrappers/WrappedMethod.java:74-84 | null when absent; the call's failure passes through; a null result or no stored type gives null; otherwise the result goes through Class.cast to the stored type |
| WrappedMethods.VoidPrepareYieldsNull | src/main/java/me/googas/reflect/wrappers/WrappedMethod.java:57-59 | with void requested, prepare yields null or the call's own failure |
| WrappedMethods.PreparePrimitiveIsBoxed | src/main/java/me/googas/reflect/wrappers/WrappedMethod.java:53-84 | with a primitive requested, a non-null result is assignable to its box type |
| WrappedMethods.GetReturnType | src/main/java/me/googas/reflect/wrappers/WrappedMethod.java:111-113 | empty iff no return type is stored |
| WrappedMethods.Equals | src/main/java/me/googas/reflect/wrappers/WrappedMethod.java:133-139 | equal descriptors report the same return type |
| WrappedMethods.EqualsIsIdentity | src/main/java/me/googas/reflect/wrappers/WrappedMethod.java:133-139 | equal iff both the method and the stored return type are equal |
| WrappedMethods.BoxedRequestsCoincide | src/main/java/me/googas/reflect/wrappers/WrappedMethod.java:39-60 | of(m) equals of(m, null); of(m, int) equals of(m, Integer) |
| WrappedConstructors.Of | src/main/java/me/googas/reflect/wrappers/WrappedConstructor.java:26-29 | never fails; null gives an absent descriptor |
| WrappedConstructors.Invoke | src/main/java/me/googas/reflect/wrappers/WrappedConstructor.java:42-49 | null without instantiating when absent; otherwise one newInstance with the same arguments, its value or failure |
| WrappedConstructors.GetConstructor | src/main/java/me/googas/reflect/wrappers/WrappedConstructor.java:56-58 | returns the wrapped reference: re-wrapping it gives the same descriptor |
| WrappedConstructors.EqualsIffSameConstructor | src/main/java/me/googas/reflect/wrappers/LangWrapper.java:35-40 | the inherited equals holds iff both wrap the same constructor |
| WrappedConstructors.AbsentNeverInstantiates | src/main/java/me/googas/reflect/wrappers/WrappedConstructor.java:42-49 | an absent descriptor returns null for every argument list |
| CollectionModifiers.AddAt | src/main/java/me/googas/reflect/modifiers/CollectionModifier.java:105-107 | the Add policy with that index and element |
| CollectionModifiers.AddValue | src/main/java/me/googas/reflect/modifiers/CollectionModifier.java:70-72 | an Add with a negative index, so it always appends |
| CollectionModifiers.AddWrapperAt | src/main/java/me/googas/reflect/modifiers/CollectionModifier.java:93-95 | adds the wrapped value, null if the wrapper is absent |
| CollectionModifiers.AddWrapper | src/main/java/me/googas/reflect/modifiers/CollectionModifier.java:81-83 | the Add policy at index -1 with the wrapped value, null when the wrapper is absent |
| CollectionModifiers.AddAllOf | src/main/java/me/googas/reflect/modifiers/CollectionModifier.java:43-45 | the AddAll policy over the collection's elements |
| CollectionModifiers.Unwrapped | src/main/java/me/googas/reflect/modifiers/CollectionModifier.java:56-60 | keeps exactly the present wrappers' values and never grows |
| CollectionModifiers.UnwrappedAppend | src/main/java/me/googas/reflect/modifiers/CollectionModifier.java:56-60 | filtering distributes over concatenation, so relative order is kept |
| CollectionModifiers.UnwrappedAllPresent | src/main/java/me/googas/reflect/modifiers/CollectionModifier.java:56-60 | with every wrapper present, the result is their values position by position |
| CollectionModifiers.AddWrappers | src/main/java/me/googas/reflect/modifiers/CollectionModifier.java:54-61 | an AddAll whose values are exactly the present wrappers' values in their order (Unwrapped) |
| CollectionModifiers.CollectionAdd | src/main/java/me/googas/reflect/modifiers/CollectionModifier.java:154 | Collection.add: true iff the collection is not a set already holding x; true appends x, false leaves the elements unchanged |
| CollectionModifiers.ListInsert | src/main/java/me/googas/reflect/modifiers/CollectionModifier.java:150-152 | List.add(index, x): x inserted at index with the rest shifted; beyond the end an InvocationTargetException and no change |
| CollectionModifiers.CollectionAddAll | src/main/java/me/googas/reflect/modifiers/CollectionModifier.java:173 | Collection.addAll never loses or reorders the elements already there |
| CollectionModifiers.Apply | src/main/java/me/googas/reflect/modifiers/CollectionModifier.java:150-173 | an Add with index > -1 on a list is List.add(index, x), any other Add is Collection.add(x), and AddAll is Collection.addAll; no element already held is lost; an Add that succeeds leaves its element held and grows the collection by at most one; the only failure is an index past the end of a list, which changes nothing |
| CollectionModifiers.ListAddAllAppends | src/main/java/me/googas/reflect/modifiers/CollectionModifier.java:168-174 | on a list, addAll appends every value in order and returns true iff there was one |
| CollectionModifiers.SetAddAllContains | src/main/java/me/googas/reflect/modifiers/CollectionModifier.java:168-174 | on a set, addAll leaves every value held, adds nothing else, and returns true iff some value was missing |
| CollectionModifiers.AddExamples | src/main/java/me/googas/reflect/modifiers/CollectionModifier.java:150-154 | Add(1, x) on [a,b,c] gives [a,x,b,c]; Add(-1, x) gives [a,b,c,x] |
| CollectionModifiers.NegativeIndexAppends | src/main/java/me/googas/reflect/modifiers/CollectionModifier.java:153-154 | a negative index calls Collection.add, appending on a list |
| CollectionModifiers.AddAllExample | src/main/java/me/googas/reflect/modifiers/CollectionModifier.java:168-174 | AddAll [1,2,3] on an empty list gives [1,2,3] |
| CollectionModifiers.AddModify | src/main/java/me/googas/reflect/modifiers/CollectionModifier.java:145-156 | the collection's new elements and the result are those of the add-at-index or add call; its fields are untouched |
| CollectionModifiers.AddAllModify | src/main/java/me/googas/reflect/modifiers/CollectionModifier.java:168-174 | the same for the addAll call |
| CollectionModifiers.Modify | src/main/java/me/googas/reflect/modifiers/CollectionModifier.java:110-117 | false and no change unless the field holds a collection; else that collection's elements change as the policy says and its result is returned; neither the object's nor the collection's fields change |
| CollectionModifiers.SetWithModifier | src/main/java/me/googas/reflect/wrappers/WrappedField.java:112-119 | false without touching anything when the field is absent; otherwise exactly what modify does and returns, with every field map unchanged |
| CollectionModifiers.AddDescriptorsAbsent | src/main/java/me/googas/reflect/modifiers/CollectionModifier.java:24-34 | given the JDK signatures of Collection.add, Collection.addAll and List.add and only reflexive assignability, the lookups of ADD, ADD_INDEX and ADD_ALL all come back absent |
| LangWrappers.Get | src/main/java/me/googas/reflect/wrappers/LangWrapper.java:24-26 | empty iff the handle is null, else the handle |
| LangWrappers.Set | src/main/java/me/googas/reflect/wrappers/LangWrapper.java:30-32 | always UnsupportedOperationException; the wrapper is not replaced |
| LangWrappers.Equals | src/main/java/me/googas/reflect/wrappers/LangWrapper.java:35-40 | equal wrappers hold the same handle, as get() reports it |
| LangWrappers.HashCode | src/main/java/me/googas/reflect/wrappers/LangWrapper.java:43-45 | the hash of the handle get() reports, the hash function being a parameter |
| LangWrappers.EqualsIsIdentity | src/main/java/me/googas/reflect/wrappers/LangWrapper.java:35-40 | equal iff the runtime classes and the handles are equal |
| LangWrappers.EqualsThenSameHash | src/main/java/me/googas/reflect/wrappers/LangWrapper.java:35-45 | equal wrappers have equal hash codes |
| SimpleWrappers.SimpleWrapper.constructor | src/main/java/me/googas/reflect/SimpleWrapper.java:22-24 | stores its argument as the reference |
| SimpleWrappers.SimpleWrapper.GetHandle | src/main/java/me/googas/reflect/SimpleWrapper.java:27-29 | the raw reference, null included |
| SimpleWrappers.SimpleWrapper.Get | src/main/java/me/googas/reflect/SimpleWrapper.java:32-34 | empty iff the reference is null, else the reference |
| SimpleWrappers.SimpleWrapper.IsPresent | src/main/java/me/googas/reflect/SimpleWrapper.java:48-50 | true iff the reference is non-null, agreeing with get() |
| SimpleWrappers.SimpleWrapper.Set | src/main/java/me/googas/reflect/SimpleWrapper.java:38-41 | replaces the reference, returns the same instance; getHandle then returns the new value |
| AbstractWrappers.AbstractWrapper.constructor | src/main/java/me/googas/reflect/AbstractWrapper.java:21-23 | stores its argument |
| AbstractWrappers.AbstractWrapper.GetWrapped | src/main/java/me/googas/reflect/AbstractWrapper.java:14 | the current wrapped value, null included |
| AbstractWrappers.AbstractWrapper.SetWrapped | src/main/java/me/googas/reflect/AbstractWrapper.java:14 | replaces the value; getWrapped returns the latest value set |
| AbstractWrappers.AbstractWrapper.Equals | src/main/java/me/googas/reflect/AbstractWrapper.java:31-40 | equal only to a non-null wrapper whose getter reports an equal value |
| AbstractWrappers.AbstractWrapper.HashCode | src/main/java/me/googas/reflect/AbstractWrapper.java:42-45 | the hash of the value the getter reports, the hash function being a parameter |
| AbstractWrappers.AbstractWrapper.EqualsByValue | src/main/java/me/googas/reflect/AbstractWrapper.java:31-40 | equal iff the other wrapper is non-null and holds an equal value |
| AbstractWrappers.AbstractWrapper.EqualsThenSameHash | src/main/java/me/googas/reflect/AbstractWrapper.java:42-45 | equal wrappers have equal hash codes |

## Left out

- Real JVM reflection. Member enumeration, Class.forName, Field.get/set, Class.cast, Method.invoke and Constructor.newInstance are abstract data or function parameters. Why access, invocation or instantiation fails is not modelled.
- setAccessible: the accessibility override done by each of(...) is not modelled. Access failure is out of scope, so the flag has no observable effect in the model.
- Class.getField and Class.getDeclaredField are modelled as the first field with that name in getFields()/getDeclaredFields() order. The JVM's own search order over superclasses and interfaces is not modelled.
- Enumeration order: only some fixed order of each enumeration is assumed.
- Class.forName: only ClassNotFoundException is caught. Linkage and initialisation errors propagate in the source and are not modelled.
- Field.get and Field.set: static and final fields are not modelled (Jvm.FieldGet, Jvm.FieldSet, WrappedFields.Provide, WrappedFields.Get, WrappedFields.Set). A static field is read and written through the instance's own field map, and an instance without the field gives IllegalArgumentException. Field.set also does not check the value's type against the field's type.
- getConstructor, getField, getDeclaredField, getMethod and getDeclaredMethod require a present class. The source dereferences the class unguarded and would throw NullPointerException.
- Lombok @NonNull checks on arguments are preconditions by typing. Non-null parameters are plain values, not Option.
- toString and StringJoiner rendering are display only.
- Concrete hashCode values are out. Hashes are a parameter, and only "equal implies equal hash" is kept. WrappedMethod.hashCode is left out entirely.
- Java's equals(Object) accepts any object. Here it compares two wrappers of the same kind, so "a different runtime class is unequal" is only modelled for LangWrapper.
- CollectionModifiers.Modify: assumes the ADD, ADD_INDEX and ADD_ALL descriptors are present and applies the JDK calls directly. Under the parameter rule as written those lookups are absent (AddDescriptorsAbsent). The source then returns true without inserting for an index on a list, and throws NullPointerException (unboxing a null Boolean) on the add and addAll paths. Those outcomes are not modelled.
- Collections: a list appends and inserts; any other collection is modelled as a set that appends new elements and ignores held ones. Unmodifiable collections and other Collection implementations are not modelled.
- CollectionModifiers.AddAllOf: the stored collection is modelled by its elements at creation. Later changes to that Java collection object are not reflected.
- Wrapper, SetterWrapper and Modifier are interfaces without behaviour. The held value of every wrapper is one notion: each holder keeps the source's field name (reference, wrapped, handle), and all of them are the held value; and a wrapper of values is an Option<Value> where Modifier needs one.
- Concurrency: nothing in the core is concurrent.
