/** The setter wrapper: one replaceable value with structural equality. */
module AbstractWrappers {
  import opened Jvm

  class AbstractWrapper<T(==)> {
    var wrapped: Option<T>

    /** Stores its argument. */
    constructor (wrapped: Option<T>)
      ensures this.wrapped == wrapped
    {
      this.wrapped := wrapped;
    }

    /** The generated getter. */
    function GetWrapped(): (r: Option<T>)
      reads this
      ensures r == wrapped
    {
      wrapped
    }

    /** The generated setter: the value is replaced, nothing else changes. */
    method SetWrapped(x: Option<T>)
      modifies this
      ensures wrapped == x
      ensures GetWrapped() == x
    {
      wrapped := x;
    }

    /**
     * equals against another wrapper of this class (the same runtime class):
     * the same object, or equal wrapped values; never equal to null.
     */
    predicate Equals(o: AbstractWrapper?<T>)
      reads this, o
      ensures Equals(o) ==> o != null && GetWrapped() == o.GetWrapped()
    {
      this == o || (o != null && wrapped == o.wrapped)
    }

    /** hashCode: Objects.hash of the wrapped value; the element hash is a parameter. */
    function HashCode(hashOf: Option<T> -> int): (h: int)
      reads this
      ensures h == hashOf(GetWrapped())
    {
      hashOf(wrapped)
    }

    /** The identity shortcut in equals is subsumed by value equality. */
    lemma EqualsByValue(o: AbstractWrapper?<T>)
      ensures Equals(o) <==> o != null && wrapped == o.wrapped
    {
    }

    /** Equal wrappers have equal hash codes. */
    lemma EqualsThenSameHash(hashOf: Option<T> -> int, o: AbstractWrapper<T>)
      requires Equals(o)
      ensures HashCode(hashOf) == o.HashCode(hashOf)
    {
    }
  }
}
