/**
 * The method descriptor: a possibly absent method plus an optional return
 * type used to cast results. A primitive return type is replaced by its box
 * when the descriptor is made.
 */
module WrappedMethods {
  import opened Jvm
  import ReflectUtil

  datatype WrappedMethod = WrappedMethod(handle: Option<Method>, returnType: Option<Type>)

  /** of(method): no return type is stored. */
  function OfMethod(m: Option<Method>): (r: WrappedMethod)
    ensures r.handle == m && r.returnType.None?
  {
    WrappedMethod(m, None)
  }

  /** The return type of(method, returnType) stores. */
  function StoredReturnType(returnType: Option<Type>): (r: Option<Type>)
    ensures returnType.None? ==> r.None?
    ensures returnType.Some? && IsPrimitive(returnType.value) ==> r == ReflectUtil.GetBoxing(returnType.value)
    ensures returnType.Some? && !IsPrimitive(returnType.value) ==> r == returnType
  {
    if returnType.None? then None
    else if IsPrimitive(returnType.value) then ReflectUtil.GetBoxing(returnType.value)
    else returnType
  }

  /**
   * of(method, returnType): null stays null, a primitive is boxed (void,
   * having no box, becomes null), anything else is kept. So the stored type
   * is never primitive.
   */
  function Of(m: Option<Method>, returnType: Option<Type>): (r: WrappedMethod)
    ensures r.handle == m
    ensures r.returnType.Some? ==> !IsPrimitive(r.returnType.value)
    ensures r.returnType.None? <==> returnType.None? || returnType == Some(Void)
    ensures returnType.Some? && returnType.value.Primitive? ==> r.returnType == Some(BoxOf(returnType.value.kind))
    ensures returnType.Some? && !IsPrimitive(returnType.value) ==> r.returnType == returnType
  {
    WrappedMethod(m, StoredReturnType(returnType))
  }

  /** invoke(object, params): null without a call when absent, else Method.invoke. */
  function Invoke(invoke: Invoker, w: WrappedMethod, target: Value, args: seq<Value>): (r: Result<Value>)
    ensures w.handle.None? ==> r == Ok(Null)
    ensures w.handle.Some? ==> r == invoke(w.handle.value, target, args)
  {
    match w.handle
    case None => Ok(Null)
    case Some(m) => invoke(m, target, args)
  }

  /**
   * prepare(object, params): null when the wrapper is absent, the call
   * returned null, or no return type is stored; otherwise the call's result
   * cast to the return type. Failures of the call itself pass through.
   */
  function Prepare(af: Assignability, invoke: Invoker, w: WrappedMethod, target: Value, args: seq<Value>): (r: Result<Value>)
    ensures w.handle.None? ==> r == Ok(Null)
    ensures w.handle.Some? && invoke(w.handle.value, target, args).Err? ==> r == invoke(w.handle.value, target, args)
    ensures w.returnType.None? ==> r.Ok? ==> r.value.Null?
    ensures w.handle.Some? ==>
              var call := invoke(w.handle.value, target, args);
              call.Ok? && (call.value.Null? || w.returnType.None?) ==> r == Ok(Null)
    ensures w.handle.Some? ==>
              var call := invoke(w.handle.value, target, args);
              call.Ok? && !call.value.Null? && w.returnType.Some? ==> r == Cast(af, w.returnType.value, call.value)
    ensures r.Ok? && !r.value.Null? ==>
              w.handle.Some? && w.returnType.Some?
              && invoke(w.handle.value, target, args) == Ok(r.value)
              && IsInstance(af, w.returnType.value, r.value)
  {
    match w.handle
    case None => Ok(Null)
    case Some(m) =>
      match invoke(m, target, args)
      case Err(e) => Err(e)
      case Ok(v) => if v.Null? || w.returnType.None? then Ok(Null) else Cast(af, w.returnType.value, v)
  }

  /**
   * With void as the requested return type nothing is stored, so prepare can
   * only yield null or the call's own failure.
   */
  lemma VoidPrepareYieldsNull(af: Assignability, invoke: Invoker, m: Option<Method>, target: Value, args: seq<Value>)
    ensures var r := Prepare(af, invoke, Of(m, Some(Void)), target, args);
            r == Ok(Null) || (m.Some? && r == invoke(m.value, target, args) && r.Err?)
  {
  }

  /** A value prepare returns through a primitive request is of the box type. */
  lemma PreparePrimitiveIsBoxed(af: Assignability, invoke: Invoker, m: Option<Method>, k: PrimKind, target: Value, args: seq<Value>)
    ensures var r := Prepare(af, invoke, Of(m, Some(Primitive(k))), target, args);
            r.Ok? && !r.value.Null? ==> af(BoxOf(k), TypeOf(r.value))
  {
  }

  /** getReturnType(): an Optional of the stored return type. */
  function GetReturnType(w: WrappedMethod): (r: Option<Type>)
    ensures r.None? <==> w.returnType.None?
    ensures r.Some? ==> r.value == w.returnType.value
  {
    w.returnType
  }

  /** equals: both the wrapped method and the stored return type are equal. */
  predicate Equals(a: WrappedMethod, b: WrappedMethod)
    ensures Equals(a, b) ==> GetReturnType(a) == GetReturnType(b)
  {
    a.handle == b.handle && a.returnType == b.returnType
  }

  /** equals is exactly structural equality of the descriptor. */
  lemma EqualsIsIdentity(a: WrappedMethod, b: WrappedMethod)
    ensures Equals(a, b) <==> a == b
  {
  }

  /** of(m) and of(m, null) are equal; of(m, int) and of(m, Integer) too. */
  lemma BoxedRequestsCoincide(m: Option<Method>, k: PrimKind)
    ensures Equals(OfMethod(m), Of(m, None))
    ensures Equals(Of(m, Some(Primitive(k))), Of(m, Some(BoxOf(k))))
  {
  }
}
