/**
 * The base of every descriptor: a wrapper around a handle from
 * java.lang.reflect whose handle is final. The handle may be null (absent).
 */
module LangWrappers {
  import opened Jvm

  /** The runtime class of a wrapper, which equals compares first. */
  datatype WrapperClass = ClassWrapper | FieldWrapper | MethodWrapper | ConstructorWrapper

  datatype LangWrapper<T> = LangWrapper(runtimeClass: WrapperClass, handle: Option<T>)

  /** get(): an Optional of the handle. */
  function Get<T>(w: LangWrapper<T>): (r: Option<T>)
    ensures r.None? <==> w.handle.None?
    ensures r.Some? ==> r.value == w.handle.value
  {
    w.handle
  }

  /**
   * set(x): the handle is final, so set always throws
   * UnsupportedOperationException; the wrapper it is called on is the only
   * state and stays as it was, which the unchanged argument shows.
   */
  function Set<T>(w: LangWrapper<T>, x: Option<T>): (r: Result<LangWrapper<T>>)
    ensures r == Err(UnsupportedOperation)
  {
    Err(UnsupportedOperation)
  }

  /** equals: the same runtime class and equal handles (Objects.equals). */
  predicate Equals<T(==)>(a: LangWrapper<T>, b: LangWrapper<T>)
    ensures Equals(a, b) ==> Get(a) == Get(b)
  {
    a.runtimeClass == b.runtimeClass && a.handle == b.handle
  }

  /**
   * hashCode: Objects.hash of the handle. The hash of a handle belongs to the
   * JVM and is a parameter.
   */
  function HashCode<T>(hashOf: Option<T> -> int, w: LangWrapper<T>): (h: int)
    ensures h == hashOf(Get(w))
  {
    hashOf(w.handle)
  }

  /** equals is exactly structural equality of the wrapper value. */
  lemma EqualsIsIdentity<T>(a: LangWrapper<T>, b: LangWrapper<T>)
    ensures Equals(a, b) <==> a == b
  {
  }

  /** Equal wrappers have equal hash codes. */
  lemma EqualsThenSameHash<T>(hashOf: Option<T> -> int, a: LangWrapper<T>, b: LangWrapper<T>)
    requires Equals(a, b)
    ensures HashCode(hashOf, a) == HashCode(hashOf, b)
  {
  }
}
