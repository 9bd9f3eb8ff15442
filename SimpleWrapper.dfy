/** The deprecated mutable wrapper: one replaceable reference. */
module SimpleWrappers {
  import opened Jvm

  class SimpleWrapper<T> {
    var reference: Option<T>

    /** Stores its argument as the reference. */
    constructor (reference: Option<T>)
      ensures this.reference == reference
    {
      this.reference := reference;
    }

    /** getHandle(): the raw reference. */
    function GetHandle(): (r: Option<T>)
      reads this
      ensures r == reference
    {
      reference
    }

    /** get(): an Optional that is empty exactly when the reference is null. */
    function Get(): (r: Option<T>)
      reads this
      ensures r.None? <==> reference.None?
      ensures r.Some? ==> r.value == reference.value
    {
      GetHandle()
    }

    /** isPresent(): the reference is non-null, in agreement with get(). */
    function IsPresent(): (b: bool)
      reads this
      ensures b <==> Get().Some?
      ensures b <==> reference.Some?
    {
      reference.Some?
    }

    /** set(x): replaces the reference and returns this same wrapper. */
    method Set(x: Option<T>) returns (r: SimpleWrapper<T>)
      modifies this
      ensures r == this
      ensures reference == x
      ensures GetHandle() == x && (IsPresent() <==> x.Some?)
    {
      reference := x;
      r := this;
    }
  }
}
