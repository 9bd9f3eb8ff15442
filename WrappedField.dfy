/**
 * The field descriptor: a possibly absent field plus an optional value type
 * used to cast what is read. Reads and writes act on a target object in
 * place; on an absent descriptor they read null, write nothing and report
 * false.
 */
module WrappedFields {
  import opened Jvm
  import LangWrappers

  datatype WrappedField = WrappedField(handle: Option<Field>, fieldType: Option<Type>)

  /** of(field): never fails; a null field is an absent wrapper; no value type. */
  function Of(field: Option<Field>): (r: WrappedField)
    ensures r.handle == field && r.fieldType.None?
  {
    WrappedField(field, None)
  }

  /** of(fieldType, field): as of(field), keeping the value type as given. */
  function OfTyped(fieldType: Option<Type>, field: Option<Field>): (r: WrappedField)
    ensures r.handle == field && r.fieldType == fieldType
  {
    WrappedField(field, fieldType)
  }

  /**
   * provide(instance): null on an absent wrapper, otherwise the field's
   * current value in the instance (Field.get, which throws
   * IllegalArgumentException if the instance lacks the field).
   */
  function Provide(w: WrappedField, instance: JObject): (r: Result<Value>)
    reads instance
    ensures w.handle.None? ==> r == Ok(Null)
    ensures w.handle.Some? ==> (r.Ok? <==> w.handle.value in instance.fields)
    ensures w.handle.Some? && r.Ok? ==> r.value == instance.fields[w.handle.value]
  {
    match w.handle
    case None => Ok(Null)
    case Some(f) => FieldGet(f, instance)
  }

  /**
   * get(instance): null when the wrapper is absent or has no value type;
   * otherwise the provided value cast to the value type, so a non-null
   * result is always an instance of it.
   */
  function Get(af: Assignability, w: WrappedField, instance: JObject): (r: Result<Value>)
    reads instance
    ensures w.handle.None? || w.fieldType.None? ==> r == Ok(Null)
    ensures w.handle.Some? && w.fieldType.Some? && r.Ok? ==>
              Provide(w, instance) == Ok(r.value)
              && (r.value.Null? || IsInstance(af, w.fieldType.value, r.value))
    ensures w.handle.Some? && w.fieldType.Some? && Provide(w, instance).Err? ==>
              r == Provide(w, instance)
    ensures w.handle.Some? && w.fieldType.Some? && Provide(w, instance).Ok? ==>
              r == Cast(af, w.fieldType.value, Provide(w, instance).value)
  {
    if w.handle.Some? && w.fieldType.Some? then
      match Provide(w, instance)
      case Err(e) => Err(e)
      case Ok(v) => Cast(af, w.fieldType.value, v)
    else Ok(Null)
  }

  /**
   * set(object, value): true exactly when the wrapper is present (and the
   * write happened); an absent wrapper writes nothing. After a successful
   * write provide returns the value written and every other field of the
   * object keeps its value.
   */
  method Set(w: WrappedField, obj: JObject, value: Value) returns (r: Result<bool>)
    modifies obj
    ensures w.handle.None? ==> r == Ok(false) && obj.fields == old(obj.fields)
    ensures w.handle.Some? && w.handle.value in old(obj.fields) ==>
              r == Ok(true) && obj.fields == old(obj.fields)[w.handle.value := value]
    ensures w.handle.Some? && w.handle.value !in old(obj.fields) ==>
              r == Err(IllegalArgument) && obj.fields == old(obj.fields)
    ensures r == Ok(true) ==> Provide(w, obj) == Ok(value)
    ensures forall g :: g in old(obj.fields) && Some(g) != w.handle ==>
              g in obj.fields && obj.fields[g] == old(obj.fields)[g]
    ensures obj.elements == old(obj.elements)
  {
    r := Ok(false);
    if w.handle.Some? {
      var e := FieldSet(w.handle.value, obj, value);
      if e.Some? {
        r := Err(e.value);
      } else {
        r := Ok(true);
      }
    }
  }

  /** The LangWrapper this descriptor is. */
  function AsLang(w: WrappedField): LangWrappers.LangWrapper<Field> {
    LangWrappers.LangWrapper(LangWrappers.FieldWrapper, w.handle)
  }

  /** equals: equal wrapped fields; the stored value type plays no part. */
  predicate Equals(a: WrappedField, b: WrappedField)
    ensures Equals(a, b) <==> AsLang(a) == AsLang(b)
  {
    a.handle == b.handle
  }

  /** equals agrees with the inherited LangWrapper equality. */
  lemma EqualsAsLang(a: WrappedField, b: WrappedField)
    ensures Equals(a, b) <==> LangWrappers.Equals(AsLang(a), AsLang(b))
  {
  }

  /** Two wrappers of one field are equal whatever value types they store. */
  lemma EqualsIgnoresFieldType(f: Option<Field>, t1: Option<Type>, t2: Option<Type>)
    ensures Equals(OfTyped(t1, f), OfTyped(t2, f))
    ensures t1 != t2 ==> OfTyped(t1, f) != OfTyped(t2, f)
  {
  }
}
