/** The constructor descriptor: a possibly absent constructor. */
module WrappedConstructors {
  import opened Jvm
  import LangWrappers

  datatype WrappedConstructor = WrappedConstructor(handle: Option<Constructor>)

  /** of(constructor): never fails; null gives an absent descriptor. */
  function Of(c: Option<Constructor>): (r: WrappedConstructor)
    ensures r.handle == c
  {
    WrappedConstructor(c)
  }

  /**
   * invoke(args): null without instantiating anything when absent; otherwise
   * one call of Constructor.newInstance with the same arguments, whose value
   * or failure is returned.
   */
  function Invoke(newInstance: Instantiator, w: WrappedConstructor, args: seq<Value>): (r: Result<Value>)
    ensures w.handle.None? ==> r == Ok(Null)
    ensures w.handle.Some? ==> r == newInstance(w.handle.value, args)
  {
    match w.handle
    case None => Ok(Null)
    case Some(c) => newInstance(c, args)
  }

  /** getConstructor(): the wrapped constructor itself. */
  function GetConstructor(w: WrappedConstructor): (r: Option<Constructor>)
    ensures Of(r) == w
  {
    w.handle
  }

  /** The LangWrapper this descriptor is; its equals is inherited. */
  function AsLang(w: WrappedConstructor): LangWrappers.LangWrapper<Constructor> {
    LangWrappers.LangWrapper(LangWrappers.ConstructorWrapper, w.handle)
  }

  /** Inherited equals: two descriptors are equal iff they wrap the same constructor. */
  lemma EqualsIffSameConstructor(a: WrappedConstructor, b: WrappedConstructor)
    ensures LangWrappers.Equals(AsLang(a), AsLang(b)) <==> a.handle == b.handle
  {
  }

  /** An absent descriptor yields null for every argument list. */
  lemma AbsentNeverInstantiates(newInstance: Instantiator, args: seq<Value>)
    ensures Invoke(newInstance, Of(None), args) == Ok(Null)
  {
  }
}
