/**
 * The host runtime, seen from the reflection layer: types, members of a
 * class, the class loader, heap objects and the values they hold, and the
 * exceptions the reflective primitives raise. Everything the library asks of
 * the JVM (enumeration of members, Class.forName, Field.get/set, Class.cast,
 * Method.invoke, Constructor.newInstance) is expressed over these values;
 * the parts whose behaviour lies outside the library (assignability between
 * types, what an invoked method or constructor does) are parameters.
 */
module Jvm {

  datatype Option<+T> = None | Some(value: T)

  /** The exceptions of the reflective primitives, plus the library's own. */
  datatype Error =
    | IllegalAccess          // IllegalAccessException
    | IllegalArgument        // IllegalArgumentException
    | InvocationTarget       // InvocationTargetException (the invoked code threw)
    | Instantiation          // InstantiationException (abstract class)
    | ClassCast              // ClassCastException from Class.cast
    | UnsupportedOperation   // UnsupportedOperationException

  datatype Result<+T> = Ok(value: T) | Err(error: Error)

  /** The eight primitive kinds that have a box class. */
  datatype PrimKind = Boolean | Byte | Short | Char | Int | Long | Float | Double

  /** A class object: a primitive class, void.class, or a reference type. */
  datatype Type = Primitive(kind: PrimKind) | Void | ClassType(name: string)

  /** Class.isPrimitive: true of the eight primitive classes and of void. */
  predicate IsPrimitive(t: Type) {
    t.Primitive? || t.Void?
  }

  /** The wrapper class of each primitive kind, as the JDK names it. */
  function BoxOf(k: PrimKind): (t: Type)
    ensures t.ClassType?
  {
    match k
    case Boolean => ClassType("java.lang.Boolean")
    case Byte => ClassType("java.lang.Byte")
    case Short => ClassType("java.lang.Short")
    case Char => ClassType("java.lang.Character")
    case Int => ClassType("java.lang.Integer")
    case Long => ClassType("java.lang.Long")
    case Float => ClassType("java.lang.Float")
    case Double => ClassType("java.lang.Double")
  }

  const ObjectType: Type := ClassType("java.lang.Object")
  const CollectionType: Type := ClassType("java.util.Collection")
  const ListType: Type := ClassType("java.util.List")

  /**
   * Class.isAssignableFrom: Assignable(a, b) holds when a value of type b may
   * be used where a is required. The relation itself belongs to the class
   * hierarchy of the running program and is left open.
   */
  type Assignability = (Type, Type) -> bool

  ghost predicate Reflexive(af: Assignability) {
    forall t :: af(t, t)
  }

  /** An annotation instance: its annotation type and an identity. */
  datatype Annotation = Annotation(annotationType: Type, id: nat)

  /** A java.lang.reflect.Field: declaring class, name and declared type. */
  datatype Field = Field(owner: Type, name: string, fieldType: Type)

  /** A java.lang.reflect.Method. */
  datatype Method = Method(
    owner: Type,
    name: string,
    paramTypes: seq<Type>,
    returnType: Type,
    annotations: seq<Annotation>)

  /** A java.lang.reflect.Constructor. */
  datatype Constructor = Constructor(owner: Type, paramTypes: seq<Type>)

  /**
   * A loaded class as its reflective enumerations show it, each sequence in
   * the (fixed, otherwise unspecified) order the JVM returns it:
   * getConstructors, getMethods, getDeclaredMethods, getFields and
   * getDeclaredFields.
   */
  datatype ClassInfo = ClassInfo(
    self: Type,
    constructors: seq<Constructor>,
    methods: seq<Method>,
    declaredMethods: seq<Method>,
    fields: seq<Field>,
    declaredFields: seq<Field>)

  /** What Class.forName can load: fully qualified name to class. */
  type ClassLoader = map<string, ClassInfo>

  /** Whether a heap object is a java.util.Collection, and of which kind. */
  datatype Shape = NotCollection | ListCollection | SetCollection

  /**
   * A heap object. Its instance fields are a map from field to value (the
   * domain is the set of fields its class has); a collection object also
   * holds its elements in iteration order.
   */
  class JObject {
    const runtimeType: Type
    const shape: Shape
    var fields: map<Field, Value>
    var elements: seq<Value>

    constructor (runtimeType: Type, shape: Shape, fields: map<Field, Value>, elements: seq<Value>)
      ensures this.runtimeType == runtimeType && this.shape == shape
      ensures this.fields == fields && this.elements == elements
    {
      this.runtimeType := runtimeType;
      this.shape := shape;
      this.fields := fields;
      this.elements := elements;
    }
  }

  /** A Java value: null, a boxed primitive, or a reference to a heap object. */
  datatype Value = Null | Boxed(kind: PrimKind, bits: int) | Ref(obj: JObject)

  /** getClass() of a non-null value. */
  function TypeOf(v: Value): Type
    requires !v.Null?
  {
    match v
    case Boxed(k, _) => BoxOf(k)
    case Ref(o) => o.runtimeType
  }

  /** Class.isInstance: never true of a primitive class. */
  predicate IsInstance(af: Assignability, t: Type, v: Value)
    requires !v.Null?
  {
    !IsPrimitive(t) && af(t, TypeOf(v))
  }

  /** Class.cast: null passes, an instance passes, anything else throws. */
  function Cast(af: Assignability, t: Type, v: Value): (r: Result<Value>)
    ensures r.Ok? ==> r.value == v
    ensures r.Err? <==> !v.Null? && !IsInstance(af, t, v)
    ensures r.Err? ==> r.error == ClassCast
  {
    if v.Null? || IsInstance(af, t, v) then Ok(v) else Err(ClassCast)
  }

  /**
   * Class.getField / Class.getDeclaredField: the first field of the given
   * enumeration with that name, or nothing (NoSuchFieldException).
   */
  function LookupField(fs: seq<Field>, name: string): (r: Option<Field>)
    ensures r.None? <==> forall i :: 0 <= i < |fs| ==> fs[i].name != name
    ensures r.Some? ==> r.value in fs && r.value.name == name
  {
    if fs == [] then None
    else if fs[0].name == name then Some(fs[0])
    else LookupField(fs[1..], name)
  }

  /** Field.get on an instance: IllegalArgumentException if it lacks the field. */
  function FieldGet(f: Field, obj: JObject): (r: Result<Value>)
    reads obj
    ensures r.Ok? <==> f in obj.fields
    ensures r.Ok? ==> r.value == obj.fields[f]
    ensures r.Err? ==> r.error == IllegalArgument
  {
    if f in obj.fields then Ok(obj.fields[f]) else Err(IllegalArgument)
  }

  /** Field.set on an instance: writes the one field, or fails like FieldGet. */
  method FieldSet(f: Field, obj: JObject, v: Value) returns (e: Option<Error>)
    modifies obj
    ensures e.None? <==> f in old(obj.fields)
    ensures e.Some? ==> e.value == IllegalArgument && obj.fields == old(obj.fields)
    ensures e.None? ==> obj.fields == old(obj.fields)[f := v]
    ensures obj.elements == old(obj.elements)
  {
    if f in obj.fields {
      obj.fields := obj.fields[f := v];
      e := None;
    } else {
      e := Some(IllegalArgument);
    }
  }

  /** Method.invoke(target, args): what the invoked code does is left open. */
  type Invoker = (Method, Value, seq<Value>) -> Result<Value>

  /** Constructor.newInstance(args): likewise left open. */
  type Instantiator = (Constructor, seq<Value>) -> Result<Value>
}
